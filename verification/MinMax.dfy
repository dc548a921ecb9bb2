/** `MinMax` (src/congestion_control/minmax.rs): Kathleen Nichols' windowed extremum
    in three samples, against the full history of accepted samples. */
module MinMaxFilter {
  import opened Base

  datatype Mode = Max | Min

  datatype Sample = Sample(time: nat, value: nat)

  /** The best, second best and third best samples. */
  datatype Best = Best(first: Sample, second: Sample, third: Sample)

  const ZERO := Sample(0, 0)
  const INITIAL := Best(ZERO, ZERO, ZERO)

  /** `a` is at least as extreme as `b`. */
  predicate Beats(mode: Mode, a: nat, b: nat)
  {
    if mode.Max? then a >= b else a <= b
  }

  function SubwinUpdate(window: nat, b: Best, x: Sample): Best
  {
    var dt := Since(x.time, b.first.time);
    if dt > window then
      var c := Best(b.second, b.third, x);
      if Since(x.time, c.first.time) > window then Best(c.second, c.third, x) else c
    else if b.second.time == b.first.time && dt > window / 4 then Best(b.first, x, x)
    else if b.third.time == b.second.time && dt > window / 2 then Best(b.first, b.second, x)
    else b
  }

  predicate Accepted(b: Best, x: Sample) { b.third.time <= x.time }

  /** `update_max` and `update_min`. */
  function Update(mode: Mode, window: nat, b: Best, x: Sample): Best
  {
    if !Accepted(b, x) then b
    else if b.first.value == 0 || Beats(mode, x.value, b.first.value) || Since(x.time, b.third.time) > window then
      Best(x, x, x)
    else
      SubwinUpdate(window,
        if Beats(mode, x.value, b.second.value) then Best(b.first, x, x)
        else if Beats(mode, x.value, b.third.value) then Best(b.first, b.second, x)
        else b, x)
  }

  // -------------------------------------------------------------------- the history

  /** Accepted samples, newest first. */
  datatype History = Empty | Then(latest: Sample, before: History)

  /** `s` was accepted, and nothing accepted since beats it: it is the extremum of the
      history from its own position on. */
  predicate BestSince(mode: Mode, h: History, s: Sample)
  {
    h.Then? && (h.latest == s || (Beats(mode, s.value, h.latest.value) && BestSince(mode, h.before, s)))
  }

  predicate Ordered(mode: Mode, b: Best)
  {
    && b.first.time <= b.second.time <= b.third.time
    && Beats(mode, b.first.value, b.second.value) && Beats(mode, b.second.value, b.third.value)
  }

  /** The three samples summarise the history. */
  predicate Summarises(mode: Mode, h: History, b: Best)
  {
    if h.Empty? then b == INITIAL else
      && Ordered(mode, b)
      && BestSince(mode, h, b.first) && BestSince(mode, h, b.second) && BestSince(mode, h, b.third)
  }

  /** An accepted update keeps the summary, and leaves the best sample in the window. */
  lemma UpdateSummarises(mode: Mode, window: nat, h: History, b: Best, x: Sample)
    requires Summarises(mode, h, b) && Accepted(b, x)
    ensures Summarises(mode, Then(x, h), Update(mode, window, b, x))
    ensures Update(mode, window, b, x).third.time <= x.time
    ensures Since(x.time, Update(mode, window, b, x).first.time) <= window
  {
  }

  /** A sample older than the third is not taken; any other one that is at least as good as the
      best replaces all three. */
  lemma TakenOrNot(mode: Mode, window: nat, b: Best, x: Sample)
    ensures x.time < b.third.time ==> Update(mode, window, b, x) == b
    ensures b.third.time <= x.time && (if mode.Max? then x.value >= b.first.value else x.value <= b.first.value) ==>
      Update(mode, window, b, x) == Best(x, x, x)
  {
  }

  // ---------------------------------------------------- against the true extremum

  predicate Member(h: History, s: Sample)
  {
    h.Then? && (h.latest == s || Member(h.before, s))
  }

  /** `v` is the extremum of the accepted samples that are at most `window` old. */
  ghost predicate WindowExtremum(mode: Mode, h: History, now: nat, window: nat, v: nat)
  {
    && (exists s :: Member(h, s) && Since(now, s.time) <= window && s.value == v)
    && (forall s :: Member(h, s) && Since(now, s.time) <= window ==> Beats(mode, v, s.value))
  }

  lemma {:induction false} BestSinceIsMember(mode: Mode, h: History, s: Sample)
    requires BestSince(mode, h, s)
    ensures Member(h, s) && Beats(mode, s.value, h.latest.value)
  {
    if h.latest != s { BestSinceIsMember(mode, h.before, s); }
  }

  /** After an accepted update the filter's answer lies between the latest sample and the
      true extremum of the window. */
  lemma BetweenLatestAndTrue(mode: Mode, window: nat, h: History, b: Best, x: Sample, v: nat)
    requires Summarises(mode, h, b) && Accepted(b, x)
    requires WindowExtremum(mode, Then(x, h), x.time, window, v)
    ensures
      var answer := Update(mode, window, b, x).first.value;
      Beats(mode, answer, x.value) && Beats(mode, v, answer)
  {
    UpdateSummarises(mode, window, h, b, x);
    BestSinceIsMember(mode, Then(x, h), Update(mode, window, b, x).first);
  }

  // --------------------------------------------------------------------- whole runs

  datatype Event = SetWindow(window: nat) | Offer(sample: Sample)

  datatype State = State(window: nat, best: Best, history: History)

  function Step(mode: Mode, s: State, e: Event): State
  {
    match e
    case SetWindow(w) => s.(window := w)
    case Offer(x) =>
      State(s.window, Update(mode, s.window, s.best, x), if Accepted(s.best, x) then Then(x, s.history) else s.history)
  }

  datatype Run = New(window: nat) | After(prefix: Run, event: Event)

  function Final(mode: Mode, r: Run): State
  {
    match r
    case New(w) => State(w, INITIAL, Empty)
    case After(p, e) => Step(mode, Final(mode, p), e)
  }

  /** In every run, with any window changes and any rejected samples in between, the three
      samples summarise everything accepted so far. */
  lemma {:induction false} EveryRunSummarises(mode: Mode, r: Run)
    ensures Summarises(mode, Final(mode, r).history, Final(mode, r).best)
  {
    match r
    case New(_) =>
    case After(p, e) =>
      EveryRunSummarises(mode, p);
      var s := Final(mode, p);
      if e.Offer? && Accepted(s.best, e.sample) { UpdateSummarises(mode, s.window, s.history, s.best, e.sample); }
  }

  /** So after every accepted sample of every run the answer is in the window and between
      the latest sample and the true windowed extremum. */
  lemma EveryAnswerIsSound(mode: Mode, r: Run, x: Sample, v: nat)
    requires Accepted(Final(mode, r).best, x)
    requires WindowExtremum(mode, Then(x, Final(mode, r).history), x.time, Final(mode, r).window, v)
    ensures
      var s := Final(mode, After(r, Offer(x)));
      && Since(x.time, s.best.first.time) <= s.window
      && BestSince(mode, s.history, s.best.first)
      && Beats(mode, s.best.first.value, x.value)
      && Beats(mode, v, s.best.first.value)
  {
    EveryRunSummarises(mode, r);
    var s := Final(mode, r);
    UpdateSummarises(mode, s.window, s.history, s.best, x);
    BetweenLatestAndTrue(mode, s.window, s.history, s.best, x, v);
  }

  // ------------------------------------------------------------- when it is exact

  /** `v` is at least as extreme as every accepted sample from time `since` on. */
  ghost predicate Covers(mode: Mode, h: History, since: nat, v: nat)
  {
    forall s :: Member(h, s) && since <= s.time ==> Beats(mode, v, s.value)
  }

  /** The update drops the best sample although nothing better came: it has left the
      window, or it is a minimum of zero, which the filter takes for no sample. */
  predicate Forgets(mode: Mode, window: nat, b: Best, x: Sample)
  {
    && !Beats(mode, x.value, b.first.value)
    && (b.first.value == 0 || Since(x.time, b.first.time) > window)
  }

  /** Each choice is the one before it or strictly worse. */
  predicate Graded(mode: Mode, b: Best)
  {
    && (b.second == b.first || !Beats(mode, b.second.value, b.first.value))
    && (b.third == b.second || !Beats(mode, b.third.value, b.second.value))
  }

  lemma UpdateGraded(mode: Mode, window: nat, b: Best, x: Sample)
    requires Ordered(mode, b) && Graded(mode, b) && Accepted(b, x)
    ensures Graded(mode, Update(mode, window, b, x))
  {
  }

  /** The answer gets strictly worse exactly when the update forgets. */
  lemma WorseIffForgets(mode: Mode, window: nat, b: Best, x: Sample)
    requires Ordered(mode, b) && Graded(mode, b) && Accepted(b, x)
    ensures Beats(mode, Update(mode, window, b, x).first.value, b.first.value) <==> !Forgets(mode, window, b, x)
    ensures Beats(mode, Update(mode, window, b, x).first.value, x.value)
  {
  }

  /** An answer that is the extremum of everything accepted since some time stays so if
      and only if the update does not forget. */
  lemma CoverageStepIff(mode: Mode, window: nat, h: History, b: Best, x: Sample, since: nat)
    requires h.Then? && Summarises(mode, h, b) && Graded(mode, b) && Accepted(b, x)
    requires Covers(mode, h, since, b.first.value) && since <= b.first.time
    ensures Covers(mode, Then(x, h), since, Update(mode, window, b, x).first.value) <==> !Forgets(mode, window, b, x)
  {
    var v := Update(mode, window, b, x).first.value;
    WorseIffForgets(mode, window, b, x);
    BestSinceIsMember(mode, h, b.first);
    assert Member(Then(x, h), b.first);
    if !Forgets(mode, window, b, x) {
      forall s | Member(Then(x, h), s) && since <= s.time ensures Beats(mode, v, s.value) {
        assert s == x || Member(h, s);
      }
    }
  }

  /** So an answer that covers the whole window is the true extremum of the window for as
      long as updates do not forget. */
  lemma ExactWhenCovered(mode: Mode, window: nat, h: History, b: Best, x: Sample, since: nat)
    requires h.Then? && Summarises(mode, h, b) && Graded(mode, b) && Accepted(b, x) && !Forgets(mode, window, b, x)
    requires Covers(mode, h, since, b.first.value) && since <= b.first.time && since + window <= x.time
    ensures WindowExtremum(mode, Then(x, h), x.time, window, Update(mode, window, b, x).first.value)
  {
    var g, c := Then(x, h), Update(mode, window, b, x);
    UpdateSummarises(mode, window, h, b, x);
    CoverageStepIff(mode, window, h, b, x, since);
    BestSinceIsMember(mode, g, c.first);
    assert Member(g, c.first) && Since(x.time, c.first.time) <= window;
  }

  /** No accepted sample of the run made the filter forget. */
  predicate NeverForgets(mode: Mode, r: Run)
  {
    match r
    case New(_) => true
    case After(p, e) =>
      var s := Final(mode, p);
      && NeverForgets(mode, p)
      && (e.Offer? && Accepted(s.best, e.sample) && s.history.Then? ==> !Forgets(mode, s.window, s.best, e.sample))
  }

  /** All along the run the answer was the extremum of everything accepted so far. */
  ghost predicate ExactAllAlong(mode: Mode, r: Run)
  {
    && (r.After? ==> ExactAllAlong(mode, r.prefix))
    && Exact(mode, Final(mode, r))
  }

  ghost predicate Exact(mode: Mode, s: State)
  {
    s.history.Then? ==> Covers(mode, s.history, 0, s.best.first.value) && Member(s.history, s.best.first)
  }

  lemma {:induction false} EveryRunGraded(mode: Mode, r: Run)
    ensures Graded(mode, Final(mode, r).best) && Ordered(mode, Final(mode, r).best)
  {
    if r.After? {
      EveryRunGraded(mode, r.prefix);
      EveryRunSummarises(mode, r);
      var s := Final(mode, r.prefix);
      if r.event.Offer? && Accepted(s.best, r.event.sample) {
        UpdateGraded(mode, s.window, s.best, r.event.sample);
      }
    }
  }

  /** In every run, with window changes and rejected samples anywhere: the answer was the
      extremum of everything accepted all along if and only if no update forgot. */
  lemma {:induction false} ExactIffNeverForgets(mode: Mode, r: Run)
    ensures ExactAllAlong(mode, r) <==> NeverForgets(mode, r)
  {
    if r.After? {
      ExactIffNeverForgets(mode, r.prefix);
      if NeverForgets(mode, r.prefix) { ExactAfter(mode, r); }
    }
  }

  lemma ExactAfter(mode: Mode, r: Run)
    requires r.After? && Exact(mode, Final(mode, r.prefix)) && NeverForgets(mode, r.prefix)
    ensures Exact(mode, Final(mode, r)) <==> NeverForgets(mode, r)
  {
    hide Covers; hide Forgets;
    var s, e := Final(mode, r.prefix), r.event;
    if e.Offer? && Accepted(s.best, e.sample) {
      EveryRunGraded(mode, r.prefix);
      EveryRunSummarises(mode, r.prefix);
      EveryRunSummarises(mode, r);
      BestSinceIsMember(mode, Final(mode, r).history, Final(mode, r).best.first);
      if s.history.Then? {
        CoverageStepIff(mode, s.window, s.history, s.best, e.sample, 0);
      } else {
        FirstSample(mode, s.window, e.sample);
      }
    }
  }

  lemma FirstSample(mode: Mode, window: nat, x: Sample)
    ensures Covers(mode, Then(x, Empty), 0, Update(mode, window, INITIAL, x).first.value)
  {
  }

  /** The samples accepted before the latest occurrence of `s`. */
  function Prior(h: History, s: Sample): History
    requires Member(h, s)
  {
    if h.latest == s then h.before else Prior(h.before, s)
  }

  /** No sample accepted before `s` and still inside the window is strictly better. */
  ghost predicate BeatsPrior(mode: Mode, h: History, now: nat, window: nat, s: Sample)
    requires Member(h, s)
  {
    forall t :: Member(Prior(h, s), t) && Since(now, t.time) <= window ==> Beats(mode, s.value, t.value)
  }

  lemma {:induction false} BeatenSince(mode: Mode, h: History, b: Sample, s: Sample)
    requires BestSince(mode, h, b) && Member(h, b) && Member(h, s)
    ensures Beats(mode, b.value, s.value) || Member(Prior(h, b), s)
  {
    if h.latest != b && h.latest != s { BestSinceIsMember(mode, h.before, b); BeatenSince(mode, h.before, b, s); }
  }

  lemma {:induction false} PriorIsMember(h: History, b: Sample, s: Sample)
    requires Member(h, b) && Member(Prior(h, b), s)
    ensures Member(h, s)
  {
    if h.latest != b { PriorIsMember(h.before, b, s); }
  }

  /** After every accepted sample of every run, the answer is the true extremum of the
      window if and only if no sample accepted before it and still inside the window is
      strictly better. */
  lemma WindowedExactIff(mode: Mode, r: Run, x: Sample)
    requires Accepted(Final(mode, r).best, x)
    ensures
      var s := Final(mode, After(r, Offer(x)));
      var first := s.best.first;
      && Member(s.history, first)
      && (WindowExtremum(mode, s.history, x.time, s.window, first.value) <==>
          BeatsPrior(mode, s.history, x.time, s.window, first))
  {
    var before := Final(mode, r);
    EveryRunSummarises(mode, r);
    UpdateSummarises(mode, before.window, before.history, before.best, x);
    var s := Final(mode, After(r, Offer(x)));
    var first := s.best.first;
    BestSinceIsMember(mode, s.history, first);
    WindowedExact(mode, s.history, x.time, s.window, first);
  }

  lemma WindowedExact(mode: Mode, h: History, now: nat, window: nat, first: Sample)
    requires BestSince(mode, h, first) && Member(h, first) && Since(now, first.time) <= window
    ensures WindowExtremum(mode, h, now, window, first.value) <==> BeatsPrior(mode, h, now, window, first)
  {
    forall t | Member(Prior(h, first), t) ensures Member(h, t) { PriorIsMember(h, first, t); }
    forall t | Member(h, t) ensures Beats(mode, first.value, t.value) || Member(Prior(h, first), t) {
      BeatenSince(mode, h, first, t);
    }
  }

  // --------------------------------------------- what the second and third samples cover

  /** The second sample stands for everything accepted more than a quarter of the window after
      the first, the third for everything more than half a window after it and later than the
      second; and neither is put off longer than that. */
  ghost predicate Layered(mode: Mode, window: nat, h: History, b: Best)
  {
    h.Then? ==>
      var latest := h.latest.time;
      && (forall y :: Member(h, y) ==> y.time <= latest)
      && (b.second.time == b.first.time ==> latest <= b.first.time + window / 4)
      && (b.third.time == b.second.time ==> latest <= b.second.time || latest <= b.first.time + window / 2)
      && CoversAfter(mode, h, b.first.time + window / 4, b.second.value)
      && CoversAfter(mode, h, if b.second.time < b.first.time + window / 2 then b.first.time + window / 2
                              else b.second.time, b.third.value)
  }

  /** `v` is at least as extreme as every sample accepted later than `time`. */
  ghost predicate CoversAfter(mode: Mode, h: History, time: nat, v: nat)
  {
    forall y :: Member(h, y) && time < y.time ==> Beats(mode, v, y.value)
  }

  lemma NothingAfter(mode: Mode, h: History, time: nat, v: nat)
    requires forall y :: Member(h, y) ==> y.time <= time
    ensures CoversAfter(mode, h, time, v)
  {
  }

  /** Adding a sample that `v` beats, with everything `u` covered. */
  lemma CoversMore(mode: Mode, h: History, x: Sample, from: nat, time: nat, u: nat, v: nat)
    requires CoversAfter(mode, h, from, u) && from <= time && Beats(mode, v, u) && Beats(mode, v, x.value)
    ensures CoversAfter(mode, Then(x, h), time, v)
  {
    forall y | Member(Then(x, h), y) && time < y.time ensures Beats(mode, v, y.value) {
      assert y == x || Member(h, y);
    }
  }

  lemma LayersKept(mode: Mode, window: nat, h: History, b: Best, x: Sample)
    requires h.Then? && Summarises(mode, h, b) && Accepted(b, x) && !Forgets(mode, window, b, x)
    requires Layered(mode, window, h, b) && h.latest.time <= x.time
    ensures Layered(mode, window, Then(x, h), Update(mode, window, b, x))
  {
    hide Update; hide CoversAfter; hide BestSince; hide Forgets;
    var g, c := Then(x, h), Update(mode, window, b, x);
    TimesBounded(h, x);
    LayerTimes(mode, window, h, b, x);
    if c == Best(x, x, x) {
      NothingAfter(mode, g, x.time, x.value);
      LaterCovers(mode, g, x.time, x.time + window / 4, x.value);
      LaterCovers(mode, g, x.time, x.time + window / 2, x.value);
    } else {
      SecondCovers(mode, window, h, b, x);
      ThirdCovers(mode, window, h, b, x);
    }
  }

  lemma TimesBounded(h: History, x: Sample)
    requires h.Then? && h.latest.time <= x.time && forall y :: Member(h, y) ==> y.time <= h.latest.time
    ensures forall y :: Member(Then(x, h), y) ==> y.time <= x.time
  {
    forall y | Member(Then(x, h), y) ensures y.time <= x.time { assert y == x || Member(h, y); }
  }

  /** The second sample is set within a quarter of the window, the third within half of it. */
  lemma LayerTimes(mode: Mode, window: nat, h: History, b: Best, x: Sample)
    requires h.Then? && Summarises(mode, h, b) && Accepted(b, x) && !Forgets(mode, window, b, x)
    requires h.latest.time <= x.time
    ensures
      var c := Update(mode, window, b, x);
      && (c == Best(x, x, x) || c.first == b.first)
      && (c.second.time == c.first.time ==> x.time <= c.first.time + window / 4)
      && (c.third.time == c.second.time ==> x.time <= c.second.time || x.time <= c.first.time + window / 2)
  {
    hide BestSince;
  }

  lemma LaterCovers(mode: Mode, h: History, from: nat, time: nat, v: nat)
    requires CoversAfter(mode, h, from, v) && from <= time
    ensures CoversAfter(mode, h, time, v)
  {
  }

  lemma SecondCovers(mode: Mode, window: nat, h: History, b: Best, x: Sample)
    requires h.Then? && Summarises(mode, h, b) && Accepted(b, x) && !Forgets(mode, window, b, x)
    requires Layered(mode, window, h, b) && h.latest.time <= x.time
    requires var c := Update(mode, window, b, x); c.first == b.first && c != Best(x, x, x)
    ensures CoversAfter(mode, Then(x, h), b.first.time + window / 4, Update(mode, window, b, x).second.value)
  {
    var c := Update(mode, window, b, x);
    var quarter := b.first.time + window / 4;
    if c.second == b.second {
      if quarter < x.time {
        assert Beats(mode, c.second.value, x.value);
        CoversMore(mode, h, x, quarter, quarter, b.second.value, c.second.value);
      } else {
        NothingAfter(mode, Then(x, h), quarter, c.second.value);
      }
    } else if Beats(mode, x.value, b.second.value) {
      CoversMore(mode, h, x, quarter, quarter, b.second.value, x.value);
    } else {
      NothingAfter(mode, h, quarter, x.value);
      CoversMore(mode, h, x, quarter, quarter, x.value, x.value);
    }
  }

  lemma ThirdCovers(mode: Mode, window: nat, h: History, b: Best, x: Sample)
    requires h.Then? && Summarises(mode, h, b) && Accepted(b, x) && !Forgets(mode, window, b, x)
    requires Layered(mode, window, h, b) && h.latest.time <= x.time
    requires var c := Update(mode, window, b, x); c.first == b.first && c != Best(x, x, x)
    ensures
      var c := Update(mode, window, b, x);
      var half := b.first.time + window / 2;
      CoversAfter(mode, Then(x, h), if c.second.time < half then half else c.second.time, c.third.value)
  {
    var c := Update(mode, window, b, x);
    var half := b.first.time + window / 2;
    var from := if b.second.time < half then half else b.second.time;
    var time := if c.second.time < half then half else c.second.time;
    if x.time <= time {
      NothingAfter(mode, Then(x, h), time, c.third.value);
    } else {
      assert c.second == b.second && time == from;
      if c.third == x && !Beats(mode, x.value, b.third.value) {
        NothingAfter(mode, h, time, x.value);
        CoversMore(mode, h, x, time, time, x.value, x.value);
      } else {
        CoversMore(mode, h, x, from, time, b.third.value, c.third.value);
      }
    }
  }

  /** The window never changes and accepted samples come in the order of their times. */
  predicate Steady(mode: Mode, r: Run)
  {
    match r
    case New(_) => true
    case After(p, e) =>
      var s := Final(mode, p);
      && Steady(mode, p) && e.Offer?
      && (Accepted(s.best, e.sample) && s.history.Then? ==> s.history.latest.time <= e.sample.time)
  }

  /** In every such run, until the first sample ages out, the second and third samples cover
      the window from a quarter and a half of it on. */
  lemma {:induction false} LayersCover(mode: Mode, r: Run)
    requires Steady(mode, r) && NeverForgets(mode, r)
    ensures var s := Final(mode, r); Layered(mode, s.window, s.history, s.best)
  {
    if r.After? {
      LayersCover(mode, r.prefix);
      EveryRunSummarises(mode, r.prefix);
      var s := Final(mode, r.prefix);
      if Accepted(s.best, r.event.sample) {
        if s.history.Then? {
          LayersKept(mode, s.window, s.history, s.best, r.event.sample);
        } else {
          FirstIsLayered(mode, s.window, r.event.sample);
        }
      }
    }
  }

  lemma FirstIsLayered(mode: Mode, window: nat, x: Sample)
    ensures Layered(mode, window, Then(x, Empty), Update(mode, window, INITIAL, x))
  {
  }

  /** So when the best sample ages out and the second does not, the new answer is exact but for
      the quarter of a window after the old one: it beats everything accepted later. */
  lemma AgingOutCovers(mode: Mode, r: Run, x: Sample)
    requires Steady(mode, After(r, Offer(x))) && NeverForgets(mode, r) && Final(mode, r).history.Then?
    requires var s := Final(mode, r);
      && Accepted(s.best, x) && !Beats(mode, x.value, s.best.first.value) && s.best.first.value != 0
      && Since(x.time, s.best.second.time) <= s.window < Since(x.time, s.best.first.time)
    ensures
      var s, t := Final(mode, r), Final(mode, After(r, Offer(x)));
      CoversAfter(mode, t.history, s.best.first.time + s.window / 4, t.best.first.value)
  {
    var s := Final(mode, r);
    var quarter := s.best.first.time + s.window / 4;
    EveryRunSummarises(mode, r);
    LayersCover(mode, r);
    var a := Update(mode, s.window, s.best, x).first.value;
    assert a == if Beats(mode, x.value, s.best.second.value) then x.value else s.best.second.value;
    CoversMore(mode, s.history, x, quarter, quarter, s.best.second.value, a);
  }

  /** With a window of 100, the maximum that comes after 100 has aged out is 50, which came 29
      time units after it. */
  lemma AgingOutExample()
    ensures
      var r := After(After(After(After(New(100),
        Offer(Sample(1, 100))), Offer(Sample(30, 50))), Offer(Sample(60, 20))), Offer(Sample(102, 10)));
      Final(Max, r).best.first == Sample(30, 50)
  {
  }

  /** Once it forgets, three samples are not enough: with a window of 100, the maximum
      after these samples is reported as 10 although 20 came in 3 time units ago. */
  lemma ForgetsRecentSample()
    ensures
      var r := After(After(After(After(After(After(New(100),
        Offer(Sample(1, 100))), Offer(Sample(100, 50))), Offer(Sample(101, 40))), Offer(Sample(102, 30))),
        Offer(Sample(200, 20))), Offer(Sample(203, 10)));
      var s := Final(Max, r);
      s.best.first == Sample(203, 10) && Member(s.history, Sample(200, 20)) && Since(203, 200) <= s.window
  {
  }

  /** A minimum of zero does not survive the next sample, in any window. */
  lemma ForgetsZeroMinimum(window: nat, x: Sample)
    requires 1 <= x.time <= 1 + window && 0 < x.value
    ensures
      var r := After(After(New(window), Offer(Sample(1, 0))), Offer(x));
      var s := Final(Min, r);
      && s.best.first == x && Member(s.history, Sample(1, 0)) && Since(x.time, 1) <= s.window
      && !NeverForgets(Min, r)
  {
    var p := After(New(window), Offer(Sample(1, 0)));
    assert Final(Min, p) == State(window, Best(Sample(1, 0), Sample(1, 0), Sample(1, 0)), Then(Sample(1, 0), Empty));
  }

  // --------------------------------------------------------------------- the object

  class MinMax {
    var window: nat
    const samples: array<Sample>

    ghost predicate Valid()
      reads this
    {
      samples.Length == 3
    }

    function Abs(): Best
      requires Valid()
      reads this, samples
    {
      Best(samples[0], samples[1], samples[2])
    }

    constructor (window: nat)
      ensures Valid() && fresh(samples) && this.window == window && Abs() == INITIAL
    {
      this.window := window;
      samples := new Sample[3](_ => ZERO);
    }

    method SetWindow(window: nat)
      modifies this`window
      ensures this.window == window
    {
      this.window := window;
    }

    method Reset(x: Sample)
      requires Valid()
      modifies samples
      ensures Abs() == Best(x, x, x)
    {
      samples[0], samples[1], samples[2] := x, x, x;
    }

    method Subwin(x: Sample)
      requires Valid()
      modifies samples
      ensures Abs() == SubwinUpdate(window, old(Abs()), x)
    {
      var dt := Since(x.time, samples[0].time);
      if dt > window {
        samples[0] := samples[1];
        samples[1] := samples[2];
        samples[2] := x;
        if Since(x.time, samples[0].time) > window {
          samples[0] := samples[1];
          samples[1] := samples[2];
          samples[2] := x;
        }
      } else if samples[1].time == samples[0].time && dt > window / 4 {
        samples[2] := x;
        samples[1] := x;
      } else if samples[2].time == samples[1].time && dt > window / 2 {
        samples[2] := x;
      }
    }

    method UpdateMax(time: nat, value: nat)
      requires Valid()
      modifies samples
      ensures Abs() == Update(Max, window, old(Abs()), Sample(time, value))
    {
      if time < samples[2].time { return; }
      var x := Sample(time, value);
      if samples[0].value == 0 || x.value >= samples[0].value || Since(x.time, samples[2].time) > window {
        Reset(x);
        return;
      }
      if x.value >= samples[1].value {
        samples[2] := x;
        samples[1] := x;
      } else if x.value >= samples[2].value {
        samples[2] := x;
      }
      Subwin(x);
    }

    method UpdateMin(time: nat, value: nat)
      requires Valid()
      modifies samples
      ensures Abs() == Update(Min, window, old(Abs()), Sample(time, value))
    {
      if time < samples[2].time { return; }
      var x := Sample(time, value);
      if samples[0].value == 0 || x.value <= samples[0].value || Since(x.time, samples[2].time) > window {
        Reset(x);
        return;
      }
      if x.value <= samples[1].value {
        samples[2] := x;
        samples[1] := x;
      } else if x.value <= samples[2].value {
        samples[2] := x;
      }
      Subwin(x);
    }

    method Get() returns (v: nat)
      requires Valid()
      ensures v == Abs().first.value
    {
      v := samples[0].value;
    }
  }
}
