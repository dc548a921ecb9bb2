/** What each event does to a BBRv3 flow (src/congestion_control/bbr3.rs), in terms of the flow
    before it and the event alone: when the pipe fills, how the states follow each other, and
    when ProbeRTT is entered and left. */
module Bbr3Moves {
  import opened Base
  import opened Bbr3Machine

  // ------------------------------------------------------------------------- the gains

  /** The gains of every state, as BBRv3 tunes them. */
  lemma GainTable()
    ensures GainsOf(Startup) == Gains(2.77, 2.0) && GainsOf(Drain) == Gains(0.5, 2.0)
    ensures GainsOf(ProbeBwDown) == Gains(0.9, 2.0) && GainsOf(ProbeBwCruise) == Gains(1.0, 2.0)
    ensures GainsOf(ProbeBwRefill) == Gains(1.0, 2.0) && GainsOf(ProbeBwUp) == Gains(1.25, 2.25)
    ensures GainsOf(ProbeRTT) == Gains(1.0, 0.5)
  {
  }

  // ------------------------------------------------------------------ an ACK, in one table

  /** The acknowledged packets reached the sentinel. */
  predicate NewRound(f: Flow) { f.round.largest >= f.round.next }

  /** A round ended without the bandwidth growing as expected. */
  predicate NoGrowth(c: Config, f: Flow, a: AckTests)
  {
    NewRound(f) && !a.sampleAppLimited && a.maxBw < c.growth(f.fullBw)
  }

  predicate TooMuchLost(c: Config, f: Flow) { f.losses.lost > c.budget(f.losses.txInFlight) }

  /** A round of recovery ended with too many losses. */
  predicate HighLoss(c: Config, f: Flow, a: AckTests)
  {
    && f.round.prior >= f.losses.roundDelivered
    && f.losses.inRecovery && !a.exitRecovery
    && f.losses.events + (if f.losses.lost > 0 && f.losses.events < 15 then 1 else 0) >= c.fullLossCount
    && TooMuchLost(c, f)
  }

  /** The pipe is full after the ACK. */
  predicate Fills(c: Config, f: Flow, a: AckTests)
  {
    f.filledPipe || (NoGrowth(c, f, a) && f.fullBwCount + 1 >= c.fullBwCount) || HighLoss(c, f, a)
  }

  /** Where an ACK takes the state and the phase of the bandwidth probe; `clock` is the phase
      clock, and `restarts` whether the round is restarted on the way. */
  datatype Move = Move(state: State, phase: AckPhase, clock: Cycle, restarts: bool)

  /** Bandwidth samples are still being taken when the bounds are adapted. */
  predicate Sampling(f: Flow, phase: AckPhase) { f.probing.samples && !(phase.Stopping? && NewRound(f)) }

  function Aged(f: Flow, phase: AckPhase): AckPhase
  {
    if NewRound(f) && phase.Starting? then Feedback else if NewRound(f) && phase.Stopping? then Init else phase
  }

  function Clock(f: Flow): Cycle { f.cycle.(rounds := f.cycle.rounds + if NewRound(f) then 1 else 0) }

  predicate Due(a: AckTests, clock: Cycle)
  {
    a.now > clock.stamp + clock.wait || clock.rounds >= a.targetInflight || clock.rounds >= 63
  }

  /** ProbeBW_DOWN, when the bounds have been adapted. */
  function FromDown(a: AckTests, phase: AckPhase, clock: Cycle, restarts: bool): Move
  {
    if Due(a, clock) then Move(ProbeBwRefill, Refilling, clock, true)
    else Move(if a.headroom && a.withinBdp then ProbeBwCruise else ProbeBwDown, phase, clock, restarts)
  }

  /** The table of moves: a full pipe leads from Startup to Drain and, once drained, to
      ProbeBW_DOWN; the ProbeBW cycle goes on from there, and excessive loss cuts
      ProbeBW_UP short. */
  function MoveOf(c: Config, f: Flow, a: AckTests): Move
  {
    var restarted := Cycle(a.now, a.pick.wait, a.pick.rounds);
    var aged, clock := Aged(f, f.probing.ackPhase), Clock(f);
    if !Fills(c, f, a) then Move(f.state, f.probing.ackPhase, clock, false)
    else if f.state.Startup? || f.state.Drain? then
      if a.withinBdp then FromDown(a, Aged(f, Stopping), restarted, true) else Move(Drain, aged, clock, false)
    else match f.state
      case ProbeBwDown => FromDown(a, aged, clock, false)
      case ProbeBwCruise =>
        if Due(a, clock) then Move(ProbeBwRefill, Refilling, clock, true) else Move(ProbeBwCruise, aged, clock, false)
      case ProbeBwRefill =>
        if NewRound(f) then Move(ProbeBwUp, Starting, clock.(stamp := a.now), true)
        else Move(ProbeBwRefill, aged, clock, false)
      case ProbeBwUp =>
        if Sampling(f, f.probing.ackPhase) && TooMuchLost(c, f) then FromDown(a, Stopping, restarted, true)
        else if a.now > f.cycle.stamp + a.minRtt && a.queueHigh then Move(ProbeBwDown, Stopping, restarted, true)
        else Move(ProbeBwUp, aged, clock, false)
      case _ => Move(f.state, aged, clock, false)
  }

  /** The flow when the ACK reaches the tests on the pipe. */
  function Measured(f: Flow, a: AckTests): Flow { SignalsUpdated(RecoveryChecked(f, a)) }

  /** The samples flag after the bounds have been adapted and the state has moved. */
  predicate SamplesAfter(c: Config, f: Flow, a: AckTests)
  {
    if f.state.ProbeBwRefill? && NewRound(f) && Fills(c, f, a) then true
    else if !Fills(c, f, a) then f.probing.samples
    else
      var drained := (f.state.Startup? || f.state.Drain?) && a.withinBdp;
      Sampling(f, if drained then Stopping else f.probing.ackPhase) && !TooMuchLost(c, f)
  }

  ghost predicate Moved(c: Config, f: Flow, a: AckTests, g: Flow)
  {
    var m := MoveOf(c, f, a);
    && g.state == m.state && g.probing.ackPhase == m.phase && g.cycle == m.clock
    && g.filledPipe == Fills(c, f, a)
    && g.probing.samples == SamplesAfter(c, f, a)
    && g.round == Round(f.round.delivered, if NewRound(f) || m.restarts then f.round.delivered else f.round.next,
                        NewRound(f), f.round.largest, f.round.prior)
    && g.rtt == f.rtt
  }

  /** The tests on the pipe. */
  lemma StartupTable(c: Config, f: Flow, a: AckTests)
    requires PipeAgrees(f)
    ensures Tested(c, f, a, CheckStartupDone(c, Measured(f, a), a))
  {
    hide Sound; hide Carries;
  }

  /** The bounds are adapted and the cycle moves on. */
  lemma CycleTable(c: Config, f: Flow, a: AckTests, g: Flow)
    requires g.filledPipe && !g.state.Startup? && !g.state.Drain? && g.round.start == NewRound(f)
    requires g.losses.lost == f.losses.lost && g.losses.txInFlight == f.losses.txInFlight
    requires g.probing.samples == f.probing.samples
    ensures
      var r := UpdateCyclePhase(c, g, a);
      var aged := Aged(f, g.probing.ackPhase);
      var restarted := Cycle(a.now, a.pick.wait, a.pick.rounds);
      var m :=
        match g.state
        case ProbeBwDown => FromDown(a, aged, g.cycle, false)
        case ProbeBwCruise =>
          if Due(a, g.cycle) then Move(ProbeBwRefill, Refilling, g.cycle, true)
          else Move(ProbeBwCruise, aged, g.cycle, false)
        case ProbeBwRefill =>
          if NewRound(f) then Move(ProbeBwUp, Starting, g.cycle.(stamp := a.now), true)
          else Move(ProbeBwRefill, aged, g.cycle, false)
        case ProbeBwUp =>
          if Sampling(f, g.probing.ackPhase) && TooMuchLost(c, f) then FromDown(a, Stopping, restarted, true)
          else if a.now > g.cycle.stamp + a.minRtt && a.queueHigh then Move(ProbeBwDown, Stopping, restarted, true)
          else Move(ProbeBwUp, aged, g.cycle, false)
        case _ => Move(g.state, aged, g.cycle, false);
      && r.state == m.state && r.probing.ackPhase == m.phase && r.cycle == m.clock && r.filledPipe && r.rtt == g.rtt
      && r.round == (if m.restarts then g.round.(next := g.round.delivered) else g.round)
      && r.probing.samples == ((g.state.ProbeBwRefill? && NewRound(f))
                               || (Sampling(f, g.probing.ackPhase) && !TooMuchLost(c, f)))
  {
    hide Sound; hide Carries;
    AdaptTable(c, f, a, g);
    hide AdaptUpperBounds;
  }

  lemma AdaptTable(c: Config, f: Flow, a: AckTests, g: Flow)
    requires g.round.start == NewRound(f) && !g.state.Startup?
    requires g.losses.lost == f.losses.lost && g.losses.txInFlight == f.losses.txInFlight
    requires g.probing.samples == f.probing.samples
    ensures
      var r := AdaptUpperBounds(c, g, a);
      var reacts := Sampling(f, g.probing.ackPhase) && TooMuchLost(c, f);
      var p := g.probing.(ackPhase := Aged(f, g.probing.ackPhase),
                          samples := Sampling(f, g.probing.ackPhase) && !TooMuchLost(c, f),
                          reactions := g.probing.reactions + if reacts then 1 else 0);
      r == if reacts && g.state.ProbeBwUp? then StartDown(g.(probing := p), a.now, a.pick) else g.(probing := p)
  {
    hide Sound; hide Carries;
  }

  /** The flow after the full-pipe tests. */
  ghost predicate Tested(c: Config, f: Flow, a: AckTests, g: Flow)
  {
    && g.filledPipe == Fills(c, f, a) && g.state == (if f.state.Startup? && g.filledPipe then Drain else f.state)
    && g.cycle == Clock(f) && g.probing == f.probing && g.rtt == f.rtt
    && g.losses.lost == f.losses.lost && g.losses.txInFlight == f.losses.txInFlight
    && g.round == Round(f.round.delivered, if NewRound(f) then f.round.delivered else f.round.next, NewRound(f),
                        f.round.largest, f.round.prior)
  }

  lemma PipeTable(c: Config, f: Flow, a: AckTests)
    requires PipeAgrees(f)
    ensures Moved(c, f, a, CheckPipe(c, Measured(f, a), a))
  {
    assert f.filledPipe ==> Fills(c, f, a);
    StartupTable(c, f, a);
    hide Sound; hide Carries; hide CheckStartupDone; hide UpdateCyclePhase; hide Fills; hide Measured; hide Moved;
    hide CheckDrain;
    var g := CheckStartupDone(c, Measured(f, a), a);
    if !g.filledPipe {
      NotFull(c, f, a, g);
    } else if g.state.Drain? {
      FromDrain(c, f, a, g);
    } else {
      InCycle(c, f, a, g);
    }
  }

  lemma NotFull(c: Config, f: Flow, a: AckTests, g: Flow)
    requires Tested(c, f, a, g) && !g.filledPipe && !g.state.Drain?
    ensures Moved(c, f, a, UpdateCyclePhase(c, CheckDrain(g, a), a))
  {
    hide Fills;
  }

  lemma FromDrain(c: Config, f: Flow, a: AckTests, g: Flow)
    requires Tested(c, f, a, g) && g.filledPipe && g.state.Drain?
    ensures Moved(c, f, a, UpdateCyclePhase(c, CheckDrain(g, a), a))
  {
    hide Fills; hide UpdateCyclePhase; hide Aged; hide Sampling; hide TooMuchLost; hide Due;
    var h := CheckDrain(g, a);
    if a.withinBdp { CycleTable(c, f, a, h); } else { DrainWaits(c, f, a, h); }
  }

  lemma InCycle(c: Config, f: Flow, a: AckTests, g: Flow)
    requires Tested(c, f, a, g) && g.filledPipe && !g.state.Drain? && !g.state.Startup?
    ensures Moved(c, f, a, UpdateCyclePhase(c, CheckDrain(g, a), a))
  {
    hide Fills; hide UpdateCyclePhase; hide FromDown; hide Aged; hide Sampling; hide TooMuchLost; hide Due;
    CycleTable(c, f, a, g);
  }

  lemma DrainWaits(c: Config, f: Flow, a: AckTests, g: Flow)
    requires g.state.Drain? && g.filledPipe && g.round.start == NewRound(f)
    requires g.losses.lost == f.losses.lost && g.losses.txInFlight == f.losses.txInFlight
    requires g.probing.samples == f.probing.samples
    ensures
      var r := UpdateCyclePhase(c, g, a);
      && r.state.Drain? && r.filledPipe && r.round == g.round && r.cycle == g.cycle && r.rtt == g.rtt
      && r.probing.ackPhase == Aged(f, g.probing.ackPhase)
      && r.probing.samples == (Sampling(f, g.probing.ackPhase) && !TooMuchLost(c, f))
  {
    hide Sound; hide Carries;
    AdaptTable(c, f, a, g);
    hide AdaptUpperBounds;
  }

  // ------------------------------------------------------------------------- ProbeRTT

  /** The whole ACK, seen from a flow outside ProbeRTT. */
  lemma AckOutsideProbeRtt(c: Config, f: Flow, a: AckTests)
    requires PipeAgrees(f) && !f.state.ProbeRTT?
    ensures
      var g := Step(c, f, EndAck(a));
      var m := MoveOf(c, f, a);
      && g.filledPipe == Fills(c, f, a) && g.gains == GainsOf(g.state)
      && g.probing.samples == SamplesAfter(c, f, a) && g.cycle == m.clock
      && g.rtt.expired == a.probeRttExpired && g.rtt.idleRestart == (f.rtt.idleRestart && f.round.delivered == 0)
      && if a.probeRttExpired && !f.rtt.idleRestart
         then
           && g.state.ProbeRTT? && g.probing.ackPhase.Stopping? && g.appLimited && g.round.next == f.round.delivered
           && (if a.inflightSmall
               then g.rtt.doneStamp == Some(a.now + c.probeRttDuration) && !g.rtt.roundDone
               else g.rtt.doneStamp.None?)
         else
           && g.state == m.state && g.probing.ackPhase == m.phase && g.rtt.doneStamp == f.rtt.doneStamp
           && g.appLimited == (f.appLimited && !a.bubbleAcked)
           && g.round.next == (if NewRound(f) || m.restarts then f.round.delivered else f.round.next)
  {
    hide Sound; hide Carries; hide CheckPipe; hide CheckProbeRtt; hide MoveOf; hide Fills; hide SamplesAfter;
    PipeTable(c, f, a);
    MoveStaysOutside(c, f, a);
    AppLimitedThrough(c, f, a);
    ProbeRttTable(c, MinRttUpdated(CheckPipe(c, Measured(f, a), a), a), a);
  }

  lemma MoveStaysOutside(c: Config, f: Flow, a: AckTests)
    requires !f.state.ProbeRTT?
    ensures !MoveOf(c, f, a).state.ProbeRTT?
  {
  }

  lemma AppLimitedThrough(c: Config, f: Flow, a: AckTests)
    ensures CheckPipe(c, Measured(f, a), a).appLimited == (f.appLimited && !a.bubbleAcked)
  {
    hide Sound; hide Carries; hide UpdateCyclePhase;
    CycleKeeps(c, CheckDrain(CheckStartupDone(c, Measured(f, a), a), a), a);
  }

  lemma ProbeRttTable(c: Config, f: Flow, a: AckTests)
    requires !f.state.ProbeRTT?
    ensures
      var g := CheckProbeRtt(c, f, a);
      && g.filledPipe == f.filledPipe && g.probing.samples == f.probing.samples && g.cycle == f.cycle
      && g.rtt.expired == f.rtt.expired && g.rtt.idleRestart == (f.rtt.idleRestart && f.round.delivered == 0)
      && if f.rtt.expired && !f.rtt.idleRestart
         then
           && g.state.ProbeRTT? && g.probing.ackPhase.Stopping? && g.appLimited && g.round.next == f.round.delivered
           && (if a.inflightSmall
               then g.rtt.doneStamp == Some(a.now + c.probeRttDuration) && !g.rtt.roundDone
               else g.rtt.doneStamp.None?)
         else
           && g.state == f.state && g.probing == f.probing && g.rtt.doneStamp == f.rtt.doneStamp
           && g.appLimited == f.appLimited && g.round == f.round
  {
    hide Sound; hide Carries;
  }

  /** ProbeRTT is entered by a processed ACK when the probe interval has expired and no idle
      restart is pending, and by nothing else; its end is then scheduled at once exactly if the
      flight is already small. This holds in every run. */
  lemma EntersProbeRttIff(c: Config, r: Run, e: Event)
    requires !Final(c, r).state.ProbeRTT?
    ensures
      var f, g := Final(c, r), Final(c, Then(r, e));
      && (g.state.ProbeRTT? <==> e.EndAck? && e.tests.probeRttExpired && !f.rtt.idleRestart)
      && (g.state.ProbeRTT? ==>
            if e.tests.inflightSmall
            then g.rtt.doneStamp == Some(e.tests.now + c.probeRttDuration) && !g.rtt.roundDone
            else g.rtt.doneStamp.None?)
  {
    hide Step;
    EveryRunAgrees(c, r);
    var f := Final(c, r);
    if e.EndAck? {
      AckOutsideProbeRtt(c, f, e.tests);
      MoveStaysOutside(c, f, e.tests);
    } else {
      OthersStayOutside(c, f, e);
    }
  }

  lemma OthersStayOutside(c: Config, f: Flow, e: Event)
    requires !f.state.ProbeRTT? && !e.EndAck?
    ensures !Step(c, f, e).state.ProbeRTT?
  {
  }

  /** An ACK in ProbeRTT: it is left exactly when its end has been scheduled and is past and a
      round has gone by since, for ProbeBW_CRUISE if the pipe is full and Startup if not; its
      end is scheduled when the flight has become small. */
  lemma AckInProbeRtt(c: Config, f: Flow, a: AckTests)
    requires f.state.ProbeRTT?
    ensures
      var g := Step(c, f, EndAck(a));
      var roundDone := f.rtt.roundDone || NewRound(f);
      && g.gains == GainsOf(g.state) && g.appLimited && g.filledPipe == Fills(c, f, a)
      && if f.rtt.doneStamp.None?
         then
           && g.state.ProbeRTT?
           && (if a.inflightSmall
               then g.rtt.doneStamp == Some(a.now + c.probeRttDuration) && !g.rtt.roundDone
                 && g.round.next == f.round.delivered
               else g.rtt.doneStamp.None?)
         else if roundDone && a.now > f.rtt.doneStamp.value
         then
           && g.state == (if g.filledPipe then ProbeBwCruise else Startup)
           && (g.filledPipe ==>
                 g.cycle == Cycle(a.now, a.pick.wait, a.pick.rounds) && g.round.next == f.round.delivered)
         else
           g.state.ProbeRTT? && g.rtt.doneStamp == f.rtt.doneStamp && g.rtt.roundDone == roundDone
  {
    hide Sound; hide Carries; hide CheckPipe; hide CheckProbeRtt; hide Fills; hide MoveOf;
    PipeTable(c, f, a);
    ProbeRttRemains(c, f, a);
    HandlingTable(c, MinRttUpdated(CheckPipe(c, Measured(f, a), a), a), a);
  }

  lemma ProbeRttRemains(c: Config, f: Flow, a: AckTests)
    requires f.state.ProbeRTT?
    ensures var m := MoveOf(c, f, a); m.state.ProbeRTT? && !m.restarts
  {
  }

  lemma HandlingTable(c: Config, f: Flow, a: AckTests)
    requires f.state.ProbeRTT?
    ensures
      var g := CheckProbeRtt(c, f, a);
      var roundDone := f.rtt.roundDone || f.round.start;
      && g.appLimited && g.filledPipe == f.filledPipe
      && if f.rtt.doneStamp.None?
         then
           && g.state.ProbeRTT?
           && (if a.inflightSmall
               then g.rtt.doneStamp == Some(a.now + c.probeRttDuration) && !g.rtt.roundDone
                 && g.round.next == f.round.delivered
               else g.rtt.doneStamp.None?)
         else if roundDone && a.now > f.rtt.doneStamp.value
         then
           && g.state == (if g.filledPipe then ProbeBwCruise else Startup)
           && (g.filledPipe ==>
                 g.cycle == Cycle(a.now, a.pick.wait, a.pick.rounds) && g.round.next == f.round.delivered)
         else
           g.state.ProbeRTT? && g.rtt.doneStamp == f.rtt.doneStamp && g.rtt.roundDone == roundDone
  {
    hide Sound; hide Carries;
  }

  // ------------------------------------------------------------------- the other events

  /** Sending changes a flow only when it restarts from idle while application-limited: the
      restart is noted, and ProbeRTT is left if its end is past, gains unchanged unless for
      Startup. */
  lemma SendMoves(c: Config, f: Flow, now: nat, idle: bool, pick: Pick)
    ensures
      var g := Step(c, f, Sent(now, idle, pick));
      var restarts := idle && f.appLimited;
      var leaves := restarts && f.state.ProbeRTT? && f.rtt.doneStamp.Some? && now > f.rtt.doneStamp.value;
      && g.rtt == f.rtt.(idleRestart := f.rtt.idleRestart || restarts)
      && (!leaves ==> g == f.(rtt := g.rtt))
      && (leaves && !f.filledPipe ==> g == f.(rtt := g.rtt, state := Startup, gains := GainsOf(Startup)))
      && (leaves && f.filledPipe ==>
            g == f.(rtt := g.rtt, state := ProbeBwCruise, probing := f.probing.(ackPhase := Stopping),
                    cycle := Cycle(now, pick.wait, pick.rounds), round := f.round.(next := f.round.delivered)))
  {
  }

  /** A loss is looked at in Startup and while samples are taken; if too much was lost since the
      packet was sent, sampling stops and ProbeBW_UP gives way to ProbeBW_DOWN. Entering
      recovery restarts the round. */
  lemma LossMoves(c: Config, f: Flow, l: Loss)
    ensures
      var g := Step(c, f, LossEvent(l));
      var looks := f.probing.samples || f.state.Startup?;
      var reacts := looks && l.lost > c.budget(l.txInFlight);
      var down := reacts && f.state.ProbeBwUp?;
      var enters := l.enterRecovery && !f.losses.inRecovery;
      && g.state == (if down then ProbeBwDown else f.state) && g.gains == f.gains && g.filledPipe == f.filledPipe
      && g.probing.samples == (f.probing.samples && !reacts)
      && g.probing.ackPhase == (if down then Stopping else f.probing.ackPhase)
      && g.probing.reactions == f.probing.reactions + (if reacts && !f.state.Startup? then 1 else 0)
      && g.cycle == (if down then Cycle(l.now, l.pick.wait, l.pick.rounds) else f.cycle)
      && g.round.next == (if down || enters then f.round.delivered else f.round.next)
      && g.losses.inRecovery == (f.losses.inRecovery || l.enterRecovery)
      && g.losses.lost == (if looks then l.lost else f.losses.lost)
      && g.losses.txInFlight == (if reacts then l.corrected else if looks then l.txInFlight else f.losses.txInFlight)
      && g.appLimited == (if looks then l.appLimited else f.appLimited)
  {
    hide Sound; hide Carries;
  }

  /** The counters behind the full-pipe test: a round with growth sets a new baseline and starts
      the count again, one without is counted; a new bandwidth probe takes its own baseline. */
  lemma BaselineMoves(c: Config, f: Flow, a: AckTests)
    requires PipeAgrees(f) && !f.state.ProbeRTT?
    ensures
      var g := Step(c, f, EndAck(a));
      var judged := !f.filledPipe && NewRound(f) && !a.sampleAppLimited;
      var grows := a.maxBw >= c.growth(f.fullBw);
      && g.fullBwCount == (if !judged then f.fullBwCount else if grows then 0 else f.fullBwCount + 1)
      && g.fullBw == (if f.state.ProbeBwRefill? && NewRound(f) then a.rate
                      else if judged && grows then a.maxBw else f.fullBw)
      && g.losses.events == (if f.round.prior >= f.losses.roundDelivered then 0
                             else if f.losses.lost > 0 && f.losses.events < 15 then f.losses.events + 1
                             else f.losses.events)
      && g.losses.roundDelivered ==
           (if f.round.prior >= f.losses.roundDelivered then f.round.delivered else f.losses.roundDelivered)
      && g.losses.inRecovery == (f.losses.inRecovery && !a.exitRecovery)
  {
    hide Sound; hide Carries; hide CheckPipe; hide CheckProbeRtt;
    BaselinePipe(c, f, a);
    BaselineProbeRtt(c, MinRttUpdated(CheckPipe(c, Measured(f, a), a), a), a);
  }

  lemma BaselineProbeRtt(c: Config, f: Flow, a: AckTests)
    ensures
      var g := CheckProbeRtt(c, f, a);
      g.fullBwCount == f.fullBwCount && g.fullBw == f.fullBw && g.losses == f.losses
  {
    hide Sound; hide Carries;
  }

  lemma BaselinePipe(c: Config, f: Flow, a: AckTests)
    requires PipeAgrees(f) && !f.state.ProbeRTT?
    ensures
      var g := CheckPipe(c, Measured(f, a), a);
      var judged := !f.filledPipe && NewRound(f) && !a.sampleAppLimited;
      var grows := a.maxBw >= c.growth(f.fullBw);
      && g.fullBwCount == (if !judged then f.fullBwCount else if grows then 0 else f.fullBwCount + 1)
      && g.fullBw == (if f.state.ProbeBwRefill? && NewRound(f) then a.rate
                      else if judged && grows then a.maxBw else f.fullBw)
      && g.losses.events == (if f.round.prior >= f.losses.roundDelivered then 0
                             else if f.losses.lost > 0 && f.losses.events < 15 then f.losses.events + 1
                             else f.losses.events)
      && g.losses.roundDelivered ==
           (if f.round.prior >= f.losses.roundDelivered then f.round.delivered else f.losses.roundDelivered)
      && g.losses.inRecovery == (f.losses.inRecovery && !a.exitRecovery)
  {
    hide Sound; hide Carries; hide UpdateCyclePhase;
    var g := CheckDrain(CheckStartupDone(c, Measured(f, a), a), a);
    CycleKeeps(c, g, a);
  }

  /** What the ProbeBW cycle leaves alone. */
  lemma CycleKeeps(c: Config, f: Flow, a: AckTests)
    ensures
      var g := UpdateCyclePhase(c, f, a);
      && g.fullBwCount == f.fullBwCount && g.losses == f.losses && g.appLimited == f.appLimited
      && g.fullBw == (if f.filledPipe && f.state.ProbeBwRefill? && f.round.start then a.rate else f.fullBw)
  {
    hide Sound; hide Carries; hide AdaptUpperBounds;
    AdaptKeeps(c, f, a);
  }

  lemma AdaptKeeps(c: Config, f: Flow, a: AckTests)
    ensures
      var g := AdaptUpperBounds(c, f, a);
      && g.fullBwCount == f.fullBwCount && g.losses == f.losses && g.appLimited == f.appLimited && g.fullBw == f.fullBw
      && g.round.start == f.round.start && (g.state == f.state || (f.state.ProbeBwUp? && g.state.ProbeBwDown?))
  {
    hide Sound; hide Carries;
  }

  /** Acknowledged packets are counted once; the largest snapshot decides the round. */
  lemma AckedPacketMoves(c: Config, f: Flow, size: nat, snapshot: nat, first: bool)
    ensures
      var g := Step(c, f, AckPacket(size, snapshot, first));
      g == f.(round := g.round)
      && g.round.delivered == f.round.delivered + (if first then size else 0)
      && g.round.largest == (if f.round.largest < snapshot then snapshot else f.round.largest)
      && g.round.prior == (if first && f.round.prior < snapshot then snapshot else f.round.prior)
      && g.round.next == f.round.next && g.round.start == f.round.start
    ensures
      var g := Step(c, f, BeginAck);
      && g == f.(round := g.round, losses := g.losses) && g.round == f.round.(largest := 0)
      && g.losses == f.losses.(lost := 0, txInFlight := 0)
  {
  }
}
